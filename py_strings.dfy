/**
 * The Python string operations the scraper relies on: `s.split(sep)` with a
 * non-empty separator, `sep.join(parts)` and `s.replace(old, new)`.
 */
module PyStrings {
  import opened Outcomes

  /** `sep` occurs in `s` starting at index `i`. */
  predicate OccursAt(s: string, sep: string, i: nat) {
    i + |sep| <= |s| && s[i..i + |sep|] == sep
  }

  /** Python's `sep in s`. */
  predicate Contains(s: string, sep: string) {
    exists i: nat | i <= |s| :: OccursAt(s, sep, i)
  }

  /** Leftmost occurrence of `sep` in `s` at or after `from` (Python's `s.find(sep, from)`). */
  function FindFrom(s: string, sep: string, from: nat): (r: Option<nat>)
    requires from <= |s|
    ensures r.Some? ==> from <= r.value && OccursAt(s, sep, r.value)
    ensures r.Some? ==> forall j: nat :: from <= j < r.value ==> !OccursAt(s, sep, j)
    ensures r.None? ==> forall j: nat :: from <= j ==> !OccursAt(s, sep, j)
    decreases |s| - from
  {
    if OccursAt(s, sep, from) then Some(from)
    else if from == |s| then None
    else FindFrom(s, sep, from + 1)
  }

  /** Leftmost occurrence of `sep` in `s`. */
  function Find(s: string, sep: string): (r: Option<nat>)
    ensures r.Some? ==> OccursAt(s, sep, r.value)
    ensures r.Some? ==> forall j: nat :: j < r.value ==> !OccursAt(s, sep, j)
    ensures r.None? ==> forall j: nat :: !OccursAt(s, sep, j)
  {
    FindFrom(s, sep, 0)
  }

  /** `Find` reports no occurrence exactly when `sep` is not in `s`. */
  lemma FindNoneIffAbsent(s: string, sep: string)
    ensures Find(s, sep).None? <==> !Contains(s, sep)
  {
    var f := Find(s, sep);
    if f.Some? {
      assert f.value <= |s| && OccursAt(s, sep, f.value);
    }
  }

  /** An occurrence of `sep` inside a prefix of `s` is an occurrence in `s`. */
  lemma OccursInPrefix(s: string, sep: string, i: nat, j: nat)
    requires i <= |s| && OccursAt(s[..i], sep, j)
    ensures OccursAt(s, sep, j)
  {
    assert s[..i][j..j + |sep|] == s[j..j + |sep|];
  }

  /**
   * Python's `s.split(sep)`: the pieces between successive leftmost,
   * non-overlapping occurrences of `sep`.
   */
  function Split(s: string, sep: string): (r: seq<string>)
    requires sep != []
    ensures |r| >= 1
    decreases |s|
  {
    match Find(s, sep)
    case None => [s]
    case Some(i) => [s[..i]] + Split(s[i + |sep|..], sep)
  }

  /** No piece of a split contains the separator. */
  lemma {:induction false} SplitPiecesFree(s: string, sep: string)
    requires sep != []
    ensures forall k :: 0 <= k < |Split(s, sep)| ==> !Contains(Split(s, sep)[k], sep)
    decreases |s|
  {
    match Find(s, sep)
    case None =>
    case Some(i) =>
      var head := s[..i];
      forall j: nat | OccursAt(head, sep, j) ensures false {
        OccursInPrefix(s, sep, i, j);
      }
      SplitPiecesFree(s[i + |sep|..], sep);
      SplitStep(s, sep, i);
  }

  /** Python's `sep.join(parts)`. */
  function Join(parts: seq<string>, sep: string): (r: string)
  {
    if parts == [] then []
    else if |parts| == 1 then parts[0]
    else parts[0] + sep + Join(parts[1..], sep)
  }

  /** Python's `s.replace(target, replacement)` for a non-empty `target`, as `replacement.join(s.split(target))`. */
  function Replace(s: string, target: string, replacement: string): string
    requires target != []
  {
    Join(Split(s, target), replacement)
  }

  /** A string that does not contain the one-character string `[c]` has no `c`. */
  lemma NotContainsChar(s: string, c: char)
    requires !Contains(s, [c])
    ensures c !in s
  {
    forall k | 0 <= k < |s| ensures s[k] != c {
      assert s[k..k + 1] == [s[k]];
      assert !OccursAt(s, [c], k);
    }
  }

  /** A prefix of a string free of `sep` is free of `sep`. */
  lemma NotContainsPrefix(s: string, n: nat, sep: string)
    requires n <= |s| && !Contains(s, sep)
    ensures !Contains(s[..n], sep)
  {
    forall j: nat | j <= n ensures !OccursAt(s[..n], sep, j) {
      if OccursAt(s[..n], sep, j) {
        OccursInPrefix(s, sep, n, j);
      }
    }
  }

  /** Splitting and joining back with the same separator gives the original string. */
  lemma {:induction false} JoinSplit(s: string, sep: string)
    requires sep != []
    ensures Join(Split(s, sep), sep) == s
    decreases |s|
  {
    var f := Find(s, sep);
    if f.Some? {
      var i := f.value;
      var rest := s[i + |sep|..];
      SplitStep(s, sep, i);
      JoinSplit(rest, sep);
      JoinCons(s[..i], Split(rest, sep), sep);
      assert s == s[..i] + sep + rest by {
        assert s[i..i + |sep|] == sep;
      }
    }
  }

  /** Joining a head onto a non-empty list of parts puts the separator between them. */
  lemma JoinCons(head: string, parts: seq<string>, sep: string)
    requires parts != []
    ensures Join([head] + parts, sep) == head + sep + Join(parts, sep)
  {
    assert ([head] + parts)[1..] == parts;
  }

  /** The first piece of a split is the longest prefix free of `sep`, ended by `sep` or by the end. */
  lemma SplitHead(s: string, sep: string)
    requires sep != []
    ensures Split(s, sep)[0] <= s
    ensures Split(s, sep)[0] == s || OccursAt(s, sep, |Split(s, sep)[0]|)
  {
  }

  /** Joining with the empty separator keeps no character that no part has. */
  lemma {:induction false} JoinEmptyChars(parts: seq<string>, c: char)
    requires forall k :: 0 <= k < |parts| ==> c !in parts[k]
    ensures c !in Join(parts, [])
  {
    if |parts| > 1 {
      JoinEmptyChars(parts[1..], c);
    }
  }

  /** Every character of every piece of a split occurs in the split string. */
  lemma PieceChars(s: string, sep: string, k: nat, c: char)
    requires sep != [] && k < |Split(s, sep)| && c in Split(s, sep)[k]
    ensures c in s
  {
    JoinSplit(s, sep);
    JoinedPartChars(Split(s, sep), sep, k, c);
  }

  lemma {:induction false} JoinedPartChars(parts: seq<string>, sep: string, k: nat, c: char)
    requires k < |parts| && c in parts[k]
    ensures c in Join(parts, sep)
  {
    if |parts| > 1 && k > 0 {
      JoinedPartChars(parts[1..], sep, k - 1, c);
    }
  }

  /** A character absent from `s` is absent from every piece of its split. */
  lemma CharAbsentFromPieces(s: string, sep: string, c: char)
    requires sep != [] && c !in s
    ensures forall k :: 0 <= k < |Split(s, sep)| ==> c !in Split(s, sep)[k]
  {
    forall k | 0 <= k < |Split(s, sep)| ensures c !in Split(s, sep)[k] {
      if c in Split(s, sep)[k] {
        PieceChars(s, sep, k, c);
      }
    }
  }

  /** `s.replace(c, '')` leaves no `c` behind. */
  lemma RemoveCharGone(s: string, c: char)
    ensures c !in Replace(s, [c], [])
  {
    var parts := Split(s, [c]);
    SplitPiecesFree(s, [c]);
    forall k | 0 <= k < |parts| ensures c !in parts[k] {
      if c in parts[k] {
        var i :| 0 <= i < |parts[k]| && parts[k][i] == c;
        assert OccursAt(parts[k], [c], i);
      }
    }
    JoinEmptyChars(parts, c);
  }

  /** Unfolds one step of `Split` at the leftmost occurrence `i`. */
  lemma {:induction false} SplitStep(s: string, sep: string, i: nat)
    requires sep != [] && Find(s, sep) == Some(i)
    ensures i + |sep| <= |s|
    ensures Split(s, sep) == [s[..i]] + Split(s[i + |sep|..], sep)
  {
  }

  /** `s` with every occurrence of the character `c` removed and the other characters kept in order. */
  function DropChar(s: string, c: char): string
  {
    if s == [] then []
    else if s[0] == c then DropChar(s[1..], c)
    else [s[0]] + DropChar(s[1..], c)
  }

  /** What `DropChar` keeps of one character. */
  function Kept(x: char, c: char): string
  {
    if x == c then [] else [x]
  }

  /** Removing a character from a string with a known first character. */
  lemma DropCons(x: char, s: string, c: char)
    ensures DropChar([x] + s, c) == Kept(x, c) + DropChar(s, c)
  {
    assert ([x] + s)[1..] == s;
  }

  /** Removing a character distributes over concatenation. */
  lemma {:induction false} DropCharAppend(a: string, b: string, c: char)
    ensures DropChar(a + b, c) == DropChar(a, c) + DropChar(b, c)
  {
    if a == [] {
      assert a + b == b;
    } else {
      var x, a' := a[0], a[1..];
      assert a == [x] + a';
      assert a + b == [x] + (a' + b);
      DropCons(x, a' + b, c);
      DropCons(x, a', c);
      DropCharAppend(a', b, c);
      AppendAssoc(Kept(x, c), DropChar(a', c), DropChar(b, c));
    }
  }

  lemma AppendAssoc(x: string, y: string, z: string)
    ensures x + (y + z) == (x + y) + z
  {
  }

  /** A string without `c` loses nothing. */
  lemma {:induction false} DropCharAbsent(s: string, c: char)
    requires c !in s
    ensures DropChar(s, c) == s
  {
    if s != [] {
      assert s[0] in s;
      assert forall k :: 0 <= k < |s[1..]| ==> s[1..][k] == s[k + 1];
      DropCharAbsent(s[1..], c);
    }
  }

  /** `s.replace(c, '')` removes exactly the occurrences of `c` and keeps every other character in order. */
  lemma {:induction false} ReplaceIsDrop(s: string, c: char)
    ensures Replace(s, [c], []) == DropChar(s, c)
    decreases |s|
  {
    match Find(s, [c])
    case None =>
      FindNoneIffAbsent(s, [c]);
      NotContainsChar(s, c);
      DropCharAbsent(s, c);
    case Some(i) =>
      ReplaceStep(s, c, i);
      DropStep(s, c, i);
      ReplaceIsDrop(s[i + 1..], c);
  }

  /** Replacing up to the first `c`: the prefix before it is kept. */
  lemma ReplaceStep(s: string, c: char, i: nat)
    requires Find(s, [c]) == Some(i)
    ensures i < |s| && Replace(s, [c], []) == s[..i] + Replace(s[i + 1..], [c], [])
  {
    SplitStep(s, [c], i);
    JoinCons(s[..i], Split(s[i + 1..], [c]), []);
  }

  /** Dropping up to the first `c`: the prefix before it is kept. */
  lemma DropStep(s: string, c: char, i: nat)
    requires Find(s, [c]) == Some(i)
    ensures i < |s| && DropChar(s, c) == s[..i] + DropChar(s[i + 1..], c)
  {
    var head, tail := s[..i], s[i + 1..];
    FirstCharSplit(s, c, i);
    DropCharAbsent(head, c);
    DropCharAppend(head, [c] + tail, c);
    DropCons(c, tail, c);
  }

  /** The first occurrence of `c` splits `s` into a prefix free of `c`, `c` and the rest. */
  lemma FirstCharSplit(s: string, c: char, i: nat)
    requires Find(s, [c]) == Some(i)
    ensures i < |s| && s == s[..i] + ([c] + s[i + 1..]) && c !in s[..i]
  {
    assert s[i..i + 1] == [c];
    assert s[i] == c;
    forall k | 0 <= k < i ensures s[..i][k] != c {
      assert !OccursAt(s, [c], k);
      assert s[k..k + 1] == [s[k]];
    }
  }

  /** With no `c` in `a`, the first occurrence of `c` in `a + [c] + b` is the one just after `a`. */
  lemma FindAfterFree(a: string, c: char, b: string)
    requires Find(a, [c]).None?
    ensures Find(a + [c] + b, [c]) == Some(|a|)
  {
    var s := a + [c] + b;
    assert OccursAt(s, [c], |a|) by { assert s[|a|..|a| + 1] == [c]; }
    forall j: nat | j < |a| ensures !OccursAt(s, [c], j) {
      assert !OccursAt(a, [c], j);
      assert s[j..j + 1] == a[j..j + 1];
    }
  }

  /** The first occurrence of `c` in `a` is also the first in `a + [c] + b`. */
  lemma FindInFront(a: string, c: char, b: string, i: nat)
    requires Find(a, [c]) == Some(i)
    ensures Find(a + [c] + b, [c]) == Some(i)
  {
    var s := a + [c] + b;
    assert OccursAt(s, [c], i) by { assert s[i..i + 1] == a[i..i + 1]; }
    forall j: nat | j < i ensures !OccursAt(s, [c], j) {
      assert !OccursAt(a, [c], j);
      assert s[j..j + 1] == a[j..j + 1];
    }
  }

  /**
   * Splitting on a one-character separator distributes over an occurrence of
   * that character: the pieces of `a + [c] + b` are those of `a`, then those of `b`.
   */
  lemma {:induction false} SplitAroundChar(a: string, c: char, b: string)
    ensures Split(a + [c] + b, [c]) == Split(a, [c]) + Split(b, [c])
    decreases |a|
  {
    var f := Find(a, [c]);
    if f.None? {
      SplitAroundFree(a, c, b);
    } else {
      var i := f.value;
      var a' := a[i + 1..];
      SplitAroundChar(a', c, b);
      SplitAroundFirst(a, c, b, i);
    }
  }

  lemma SplitAroundFree(a: string, c: char, b: string)
    requires Find(a, [c]).None?
    ensures Split(a + [c] + b, [c]) == Split(a, [c]) + Split(b, [c])
  {
    var s := a + [c] + b;
    FindAfterFree(a, c, b);
    SplitStep(s, [c], |a|);
    assert s[..|a|] == a && s[|a| + 1..] == b;
  }

  lemma {:induction false} SplitAroundFirst(a: string, c: char, b: string, i: nat)
    requires Find(a, [c]) == Some(i)
    requires Split(a[i + 1..] + [c] + b, [c]) == Split(a[i + 1..], [c]) + Split(b, [c])
    ensures Split(a + [c] + b, [c]) == Split(a, [c]) + Split(b, [c])
  {
    SplitJoinedStep(a, c, b, i);
    SplitStep(a, [c], i);
    Regroup(a[..i], Split(a[i + 1..], [c]), Split(b, [c]), Split(a + [c] + b, [c]), Split(a, [c]));
  }

  /** A piece in front of two lists of pieces may be grouped with the first list. */
  lemma Regroup(head: string, middle: seq<string>, back: seq<string>, whole: seq<string>, front: seq<string>)
    requires whole == [head] + (middle + back)
    requires front == [head] + middle
    ensures whole == front + back
  {
  }

  lemma {:induction false} SplitJoinedStep(a: string, c: char, b: string, i: nat)
    requires Find(a, [c]) == Some(i)
    ensures Split(a + [c] + b, [c]) == [a[..i]] + Split(a[i + 1..] + [c] + b, [c])
  {
    var s := a + [c] + b;
    FindInFront(a, c, b, i);
    SplitStep(s, [c], i);
    assert s[..i] == a[..i];
    assert s[i + 1..] == a[i + 1..] + [c] + b;
  }

  /**
   * Joining parts that do not hold `c` with `c` and splitting on `c` gives the
   * parts back.
   */
  lemma {:induction false} SplitJoinChar(parts: seq<string>, c: char)
    requires |parts| >= 1
    requires forall k :: 0 <= k < |parts| ==> c !in parts[k]
    ensures Split(Join(parts, [c]), [c]) == parts
  {
    var p := parts[0];
    assert !Contains(p, [c]) by {
      forall j: nat | j <= |p| ensures !OccursAt(p, [c], j) {
        assert j < |p| ==> p[j..j + 1] == [p[j]];
      }
    }
    FindNoneIffAbsent(p, [c]);
    if |parts| > 1 {
      var rest := parts[1..];
      SplitJoinChar(rest, c);
      SplitAroundChar(p, c, Join(rest, [c]));
      assert Join(parts, [c]) == p + [c] + Join(rest, [c]);
      assert parts == [p] + rest;
    }
  }
}
