/** Generic facts about sequences used by several parts of the model:
    duplicate-freedom, the first index of an element, the order-preserving
    removal of duplicates that `Array.from(new Set(xs))` performs, and the
    substring test that `String.prototype.includes` performs. */
module Seqs {

  /** No element occurs twice. */
  predicate NoDup<T(==)>(s: seq<T>) {
    forall i, j :: 0 <= i < j < |s| ==> s[i] != s[j]
  }

  /** The index of the first occurrence of `x` in `s`. */
  function FirstIndex<T(==)>(s: seq<T>, x: T): (r: nat)
    requires x in s
    ensures r < |s| && s[r] == x
    ensures forall k :: 0 <= k < r ==> s[k] != x
  {
    if s[0] == x then 0 else 1 + FirstIndex(s[1..], x)
  }

  /** The first occurrence of an element of `p` is the same in `p` and in any extension of `p`. */
  lemma FirstIndexOfExtension<T>(p: seq<T>, s: seq<T>, x: T)
    requires x in p && p <= s
    ensures FirstIndex(s, x) == FirstIndex(p, x)
  {
    var b := FirstIndex(p, x);
    assert s[b] == x;
  }

  /** `Array.from(new Set(s))`: the distinct elements of `s`, in the order of their first occurrence. */
  function Dedupe<T(==)>(s: seq<T>): (r: seq<T>)
    ensures NoDup(r)
    ensures forall x :: x in s ==> x in r
    ensures forall x :: x in r ==> x in s
    ensures forall i, j :: 0 <= i < j < |r| ==> FirstIndex(s, r[i]) < FirstIndex(s, r[j])
  {
    if s == [] then []
    else
      var p, x := s[..|s| - 1], s[|s| - 1];
      assert s == p + [x];
      var d := Dedupe(p);
      forall y | y in p ensures FirstIndex(s, y) == FirstIndex(p, y) {
        FirstIndexOfExtension(p, s, y);
      }
      if x in d then d
      else
        assert FirstIndex(s, x) == |s| - 1;
        d + [x]
  }

  /** Removing duplicates never lengthens a sequence, and leaves a duplicate-free one unchanged. */
  lemma {:induction false} DedupeOfNoDup<T>(s: seq<T>)
    requires NoDup(s)
    ensures Dedupe(s) == s
  {
    if s != [] {
      var p := s[..|s| - 1];
      assert NoDup(p);
      DedupeOfNoDup(p);
      assert s[|s| - 1] !in p;
      assert s == p + [s[|s| - 1]];
    }
  }

  /** `prefix` is a prefix of `s`. */
  predicate StartsWith(s: string, prefix: string) {
    |prefix| <= |s| && s[..|prefix|] == prefix
  }

  /** `s.includes(needle)`: `needle` occurs in `s` at some position (the empty string occurs everywhere). */
  function Includes(s: string, needle: string): (r: bool)
    ensures r <==> exists i :: 0 <= i <= |s| - |needle| && StartsWith(s[i..], needle)
    decreases |s|
  {
    if StartsWith(s, needle) then
      assert StartsWith(s[0..], needle);
      true
    else if |s| == 0 then false
    else
      var rest := Includes(s[1..], needle);
      if rest then
        var i :| 0 <= i <= |s| - 1 - |needle| && StartsWith(s[1..][i..], needle);
        assert s[1..][i..] == s[i + 1..];
        true
      else
        assert forall i :: 1 <= i <= |s| - |needle| ==> s[i..] == s[1..][i - 1..];
        false
  }

  /** A sequence that is written as `a + needle + b` includes `needle`. */
  lemma IncludesInfix(a: string, needle: string, b: string)
    ensures Includes(a + needle + b, needle)
  {
    var s := a + needle + b;
    assert s[|a|..][..|needle|] == needle;
    assert StartsWith(s[|a|..], needle);
  }

  /** `parts.join(sep)`. */
  function Join(parts: seq<string>, sep: string): string
    decreases |parts|
  {
    if parts == [] then ""
    else if |parts| == 1 then parts[0]
    else Join(parts[..|parts| - 1], sep) + sep + parts[|parts| - 1]
  }

  /** `s.split(c)` for a one-character separator: the pieces between the separators, never fewer than one. */
  function Split(s: string, c: char): (r: seq<string>)
    ensures |r| >= 1
    decreases |s|
  {
    if s == [] then [""]
    else
      var p := Split(s[..|s| - 1], c);
      if s[|s| - 1] == c then p + [""]
      else p[..|p| - 1] + [p[|p| - 1] + [s[|s| - 1]]]
  }

  /** No piece of a split contains the separator. */
  lemma {:induction false} SplitPiecesAvoidSeparator(s: string, c: char)
    ensures forall i :: 0 <= i < |Split(s, c)| ==> c !in Split(s, c)[i]
    decreases |s|
  {
    if s != [] {
      SplitPiecesAvoidSeparator(s[..|s| - 1], c);
    }
  }

  lemma JoinSnoc(parts: seq<string>, p: string, sep: string)
    requires parts != []
    ensures Join(parts + [p], sep) == Join(parts, sep) + sep + p
  {
    assert (parts + [p])[..|parts|] == parts;
  }

  /** Extending the last part extends the joined string. */
  lemma JoinExtendLast(parts: seq<string>, x: char, sep: string)
    requires parts != []
    ensures Join(parts[..|parts| - 1] + [parts[|parts| - 1] + [x]], sep) == Join(parts, sep) + [x]
  {
    var k := |parts| - 1;
    if k > 0 {
      var front := parts[..k];
      JoinSnoc(front, parts[k] + [x], sep);
      assert parts == front + [parts[k]];
      JoinSnoc(front, parts[k], sep);
    }
  }

  /** Joining with one more empty part appends one separator. */
  lemma JoinSnocEmpty(p: seq<string>, joined: string, c: char)
    requires p != [] && Join(p, [c]) == joined
    ensures Join(p + [""], [c]) == joined + [c]
  {
    JoinSnoc(p, "", [c]);
  }

  /** Extending the last part by one character extends the joined string by it. */
  lemma JoinExtendLastEq(p: seq<string>, joined: string, x: char, c: char)
    requires p != [] && Join(p, [c]) == joined
    ensures Join(p[..|p| - 1] + [p[|p| - 1] + [x]], [c]) == joined + [x]
  {
    JoinExtendLast(p, x, [c]);
  }

  /** One character more: the split either gains an empty piece or extends its last one. */
  lemma SplitStep(s: string, c: char)
    requires s != []
    ensures var p := Split(s[..|s| - 1], c);
      Split(s, c) == if s[|s| - 1] == c then p + [""] else p[..|p| - 1] + [p[|p| - 1] + [s[|s| - 1]]]
  {
  }

  lemma JoinSplitStep(init: string, x: char, c: char)
    requires Join(Split(init, c), [c]) == init
    ensures Join(Split(init + [x], c), [c]) == init + [x]
  {
    var s := init + [x];
    assert s[..|s| - 1] == init;
    SplitStep(s, c);
    var p := Split(init, c);
    if x == c {
      JoinSnocEmpty(p, init, c);
    } else {
      JoinExtendLastEq(p, init, x, c);
    }
  }

  /** A non-empty sequence is its front followed by its last element. */
  lemma LastSplitOff<T>(s: seq<T>)
    requires s != []
    ensures s == s[..|s| - 1] + [s[|s| - 1]]
  {
  }

  /** Joining the pieces of a split with the separator gives back the string. */
  lemma {:induction false} JoinSplit(s: string, c: char)
    ensures Join(Split(s, c), [c]) == s
    decreases |s|
  {
    if s != [] {
      var init := s[..|s| - 1];
      JoinSplit(init, c);
      JoinSplitStep(init, s[|s| - 1], c);
      LastSplitOff(s);
    }
  }

  /** A string without the separator splits into itself alone. */
  lemma {:induction false} SplitWithoutSeparator(s: string, c: char)
    requires c !in s
    ensures Split(s, c) == [s]
    decreases |s|
  {
    if s != [] {
      SplitWithoutSeparator(s[..|s| - 1], c);
      assert s == s[..|s| - 1] + [s[|s| - 1]];
    }
  }

  /** When `b` has no separator, the last piece of splitting `a + [c] + b` is `b`. */
  lemma {:induction false} SplitLastPiece(a: string, c: char, b: string)
    requires c !in b
    ensures var r := Split(a + [c] + b, c); r[|r| - 1] == b
    decreases |b|
  {
    if b == [] {
      assert (a + [c] + b)[..|a + [c] + b| - 1] == a;
    } else {
      var b' := b[..|b| - 1];
      SplitLastPiece(a, c, b');
      assert (a + [c] + b)[..|a + [c] + b| - 1] == a + [c] + b';
      assert b == b' + [b[|b| - 1]];
    }
  }
  /** The last piece of a split is the longest suffix without the separator: either the whole string, or
      the part after the last separator. */
  lemma {:induction false} SplitLastIsSuffix(s: string, c: char)
    ensures var r := Split(s, c); var l := r[|r| - 1];
      |l| <= |s| && s[|s| - |l|..] == l && (|l| == |s| || s[|s| - |l| - 1] == c)
    decreases |s|
  {
    if s != [] {
      var init, x := s[..|s| - 1], s[|s| - 1];
      SplitLastIsSuffix(init, c);
      var p := Split(init, c);
      if x != c {
        var l := p[|p| - 1] + [x];
        assert Split(s, c)[|Split(s, c)| - 1] == l;
        assert s[|s| - |l|..] == init[|init| - |p[|p| - 1]|..] + [x];
      }
    }
  }
}
