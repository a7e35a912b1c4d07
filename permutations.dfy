/**
 * The recursive string permuters `Permuter` and `Permutor` (the two classes
 * carry the same algorithm under different variable names). `permute` takes a
 * list of characters; a one-character list gives one one-character string,
 * any other list gives, for each character `c` in list order, `c` put in
 * front of every permutation of the list with one occurrence of `c` removed.
 * The list of remaining characters, `newCharacters`, is one list reused
 * across iterations: `remove(c)` takes out the first occurrence of `c` and
 * `add(c)` puts it back at the end, so the list is reordered from one
 * iteration to the next while its multiset of characters is kept.
 *
 * The results are a `HashSet<StringBuilder>`, and a `StringBuilder` is equal
 * only to itself, so no two results are ever merged, not even equal strings.
 * The model keeps one string per builder, in a sequence.
 */
module StringFun {

  /** `List.remove(Object)` on a list of characters: the first occurrence of `c` goes, if there is one. */
  function RemoveFirst(s: seq<char>, c: char): (r: seq<char>)
    ensures c in s ==> |r| == |s| - 1 && multiset(r) == multiset(s) - multiset{c}
    ensures c !in s ==> r == s
  {
    if s == [] then []
    else
      assert s == [s[0]] + s[1..];
      if s[0] == c then s[1..]
      else [s[0]] + RemoveFirst(s[1..], c)
  }

  /** `formStrings`: each permutation with `prefix` inserted at position 0, in the same order. */
  function Prefixed(prefix: char, perms: seq<string>): seq<string>
  {
    seq(|perms|, i requires 0 <= i < |perms| => [prefix] + perms[i])
  }

  /** The strings `permute(characters)` returns, one per builder. */
  function Permutations(characters: seq<char>): seq<string>
    decreases |characters|, 1
  {
    if |characters| == 1 then [characters]
    else PermutationsFrom(characters, characters, 0)
  }

  /**
   * The loop of the recursive case, from iteration `i` on, with `work` the
   * list `newCharacters` as the earlier iterations left it.
   */
  function PermutationsFrom(characters: seq<char>, work: seq<char>, i: nat): seq<string>
    requires i <= |characters| && multiset(work) == multiset(characters)
    decreases |characters|, 0, |characters| - i
  {
    if i == |characters| then []
    else
      var c := characters[i];
      assert c in multiset(work);
      var rest := RemoveFirst(work, c);
      Prefixed(c, Permutations(rest)) + PermutationsFrom(characters, rest + [c], i + 1)
  }

  /** n!, its products written as repeated additions so that the counting proofs stay linear. */
  function Fact(n: nat): nat
  {
    if n == 0 then 1 else Times(n, Fact(n - 1))
  }

  /** `k` lots of `f`, that is `k * f`. */
  function Times(k: nat, f: nat): nat
  {
    if k == 0 then 0 else f + Times(k - 1, f)
  }

  /** Every string produced is an arrangement of the input: the same characters, as often. */
  lemma {:induction false} PermutationsSound(characters: seq<char>)
    ensures forall p :: p in Permutations(characters) ==> multiset(p) == multiset(characters) && |p| == |characters|
    decreases |characters|, 1
  {
    if |characters| != 1 {
      PermutationsFromSound(characters, characters, 0);
    }
  }

  lemma {:induction false} PermutationsFromSound(characters: seq<char>, work: seq<char>, i: nat)
    requires i <= |characters| && multiset(work) == multiset(characters)
    ensures forall p :: p in PermutationsFrom(characters, work, i) ==> multiset(p) == multiset(characters)
    decreases |characters|, 0, |characters| - i
  {
    if i < |characters| {
      var c := characters[i];
      assert c in multiset(work);
      var rest := RemoveFirst(work, c);
      PermutationsSound(rest);
      PermutationsFromSound(characters, rest + [c], i + 1);
      var front := Prefixed(c, Permutations(rest));
      forall p | p in front
        ensures multiset(p) == multiset(characters)
      {
        var k :| 0 <= k < |front| && front[k] == p;
        var q := Permutations(rest)[k];
        assert p == [c] + q;
      }
    }
  }

  /**
   * Every arrangement of a non-empty input is produced: a string is among the
   * results exactly when it has the input's characters, each as often.
   */
  lemma {:induction false} PermutationsComplete(characters: seq<char>, p: string)
    requires |characters| >= 1
    ensures p in Permutations(characters) <==> multiset(p) == multiset(characters)
    decreases |characters|, 1
  {
    PermutationsSound(characters);
    if multiset(p) == multiset(characters) {
      assert |p| == |multiset(p)| == |multiset(characters)| == |characters|;
      if |characters| == 1 {
        assert p[0] in multiset(characters);
        assert p == [characters[0]] == characters;
      } else {
        assert p[0] in multiset(characters);
        var j :| 0 <= j < |characters| && characters[j] == p[0];
        PermutationsFromComplete(characters, characters, 0, p, j);
      }
    }
  }

  lemma {:induction false} PermutationsFromComplete(characters: seq<char>, work: seq<char>, i: nat, p: string, j: nat)
    requires |characters| >= 2 && i <= j < |characters| && multiset(work) == multiset(characters)
    requires |p| == |characters| && multiset(p) == multiset(characters) && p[0] == characters[j]
    ensures p in PermutationsFrom(characters, work, i)
    decreases |characters|, 0, |characters| - i
  {
    var c := characters[i];
    var rest := RemoveFirst(work, c);
    assert |rest| == |characters| - 1 && multiset(rest + [c]) == multiset(characters) &&
           PermutationsFrom(characters, work, i)
             == Prefixed(c, Permutations(rest)) + PermutationsFrom(characters, rest + [c], i + 1) by {
      PermutationsFromStep(characters, work, i);
    }
    if i < j {
      PermutationsFromComplete(characters, rest + [c], i + 1, p, j);
    } else {
      SplitFirst(p);
      PermutationsComplete(rest, p[1..]);
      var perms := Permutations(rest);
      var k :| 0 <= k < |perms| && perms[k] == p[1..];
      assert Prefixed(c, perms)[k] == p;
    }
  }

  /**
   * n characters give n! builders, whether or not characters repeat; the
   * empty list gives none, since its loop has nothing to iterate.
   */
  lemma {:induction false} PermutationsCount(characters: seq<char>)
    ensures |Permutations(characters)| == if |characters| == 0 then 0 else Fact(|characters|)
    decreases |characters|, 1
  {
    var n := |characters|;
    if n == 0 {
      assert Permutations(characters) == PermutationsFrom(characters, characters, 0) == [];
    } else if n == 1 {
      assert Fact(n) == Times(1, Fact(0)) == 1 + Times(0, 1) == 1;
    } else {
      assert Permutations(characters) == PermutationsFrom(characters, characters, 0);
      PermutationsFromCount(characters, characters, 0);
      assert Fact(n) == Times(n, Fact(n - 1));
    }
  }

  lemma {:induction false} PermutationsFromCount(characters: seq<char>, work: seq<char>, i: nat)
    requires |characters| >= 2 && i <= |characters| && multiset(work) == multiset(characters)
    ensures |PermutationsFrom(characters, work, i)| == Times(|characters| - i, Fact(|characters| - 1))
    decreases |characters|, 0, |characters| - i
  {
    if i < |characters| {
      var c := characters[i];
      var rest := RemoveFirst(work, c);
      assert |rest| == |characters| - 1 && multiset(rest + [c]) == multiset(characters) &&
             |PermutationsFrom(characters, work, i)|
               == |Permutations(rest)| + |PermutationsFrom(characters, rest + [c], i + 1)| by {
        PermutationsFromStep(characters, work, i);
      }
      PermutationsCount(rest);
      PermutationsFromCount(characters, rest + [c], i + 1);
    }
  }

  lemma SplitFirst(p: string)
    requires |p| > 0
    ensures p == [p[0]] + p[1..] && multiset(p) == multiset{p[0]} + multiset(p[1..])
  {
    assert p == [p[0]] + p[1..];
  }

  lemma ConcatAssoc<X>(a: seq<X>, b: seq<X>, c: seq<X>)
    ensures a + (b + c) == (a + b) + c
  {
  }

  /** One iteration of the loop: `newCharacters` loses one `c`, the shorter list is permuted, `c` goes back at the end. */
  lemma PermutationsFromStep(characters: seq<char>, work: seq<char>, i: nat)
    requires i < |characters| && multiset(work) == multiset(characters)
    ensures var c := characters[i];
            var rest := RemoveFirst(work, c);
            && c in work && |rest| == |characters| - 1
            && multiset(rest + [c]) == multiset(characters)
            && PermutationsFrom(characters, work, i) == Prefixed(c, Permutations(rest)) + PermutationsFrom(characters, rest + [c], i + 1)
  {
    assert characters[i] in multiset(work);
  }

  /** `getPermutations`: the characters of `target`, in string order, go to `permute`. */
  method GetPermutations(target: string) returns (permutations: seq<string>)
    ensures permutations == Permutations(target)
  {
    var chars: seq<char> := [];
    for i := 0 to |target|
      invariant chars == target[..i]
    {
      chars := chars + [target[i]];
    }
    assert chars == target;
    permutations := Permute(chars);
  }

  /** `permute`: the base case for one character, the loop of `PrependEach` for any other length. */
  method Permute(characters: seq<char>) returns (results: seq<string>)
    ensures results == Permutations(characters)
    decreases |characters|, 1
  {
    if |characters| == 1 {
      results := [[characters[0]]];
      assert [characters[0]] == characters;
    } else {
      results := PrependEach(characters);
    }
  }

  /**
   * The recursive case of `permute`: each character in turn is removed from
   * `newCharacters`, put in front of every permutation of what is left, and
   * added back at the end of `newCharacters`.
   */
  method PrependEach(characters: seq<char>) returns (results: seq<string>)
    requires |characters| != 1
    ensures results == PermutationsFrom(characters, characters, 0)
    decreases |characters|, 0
  {
    results := [];
    var newCharacters := characters;
    for i := 0 to |characters|
      invariant multiset(newCharacters) == multiset(characters)
      invariant results + PermutationsFrom(characters, newCharacters, i) == PermutationsFrom(characters, characters, 0)
    {
      var c := characters[i];
      LoopStep(characters, newCharacters, i, results);
      newCharacters := RemoveFirst(newCharacters, c);
      var shorter := Permute(newCharacters);
      var prefixed := FormStrings(c, shorter);
      results := results + prefixed;
      newCharacters := newCharacters + [c];
    }
  }

  /** What one iteration of `PrependEach`'s loop does to its invariant. */
  lemma LoopStep(characters: seq<char>, work: seq<char>, i: nat, results: seq<string>)
    requires i < |characters| && multiset(work) == multiset(characters)
    requires results + PermutationsFrom(characters, work, i) == PermutationsFrom(characters, characters, 0)
    ensures var c := characters[i];
            var rest := RemoveFirst(work, c);
            && |rest| < |characters| && multiset(rest + [c]) == multiset(characters)
            && (results + Prefixed(c, Permutations(rest))) + PermutationsFrom(characters, rest + [c], i + 1)
               == PermutationsFrom(characters, characters, 0)
  {
    var c := characters[i];
    var rest := RemoveFirst(work, c);
    PermutationsFromStep(characters, work, i);
    ConcatAssoc(results, Prefixed(c, Permutations(rest)), PermutationsFrom(characters, rest + [c], i + 1));
  }

  /** `formStrings`: `insert(0, prefix)` on every builder. */
  method FormStrings(prefix: char, permutations: seq<string>) returns (results: seq<string>)
    ensures results == Prefixed(prefix, permutations)
  {
    results := [];
    for i := 0 to |permutations|
      invariant |results| == i && forall k :: 0 <= k < i ==> results[k] == [prefix] + permutations[k]
    {
      results := results + [[prefix] + permutations[i]];
    }
  }

  /** `String.compareTo(a, b) < 0`: the first differing character decides, else the shorter string is smaller. */
  predicate Below(a: string, b: string)
  {
    if a == [] then b != []
    else if b == [] then false
    else if a[0] != b[0] then a[0] < b[0]
    else Below(a[1..], b[1..])
  }

  lemma {:induction false} BelowIrreflexive(a: string)
    ensures !Below(a, a)
  {
    if a != [] {
      BelowIrreflexive(a[1..]);
    }
  }

  lemma {:induction false} BelowTransitive(a: string, b: string, c: string)
    requires Below(a, b) && Below(b, c)
    ensures Below(a, c)
  {
    if a != [] && a[0] == b[0] && b[0] == c[0] {
      BelowTransitive(a[1..], b[1..], c[1..]);
    }
  }

  lemma {:induction false} BelowTotal(a: string, b: string)
    ensures a == b || Below(a, b) || Below(b, a)
  {
    if a != [] && b != [] && a[0] == b[0] {
      BelowTotal(a[1..], b[1..]);
      if a[1..] == b[1..] {
        assert a == [a[0]] + a[1..] && b == [b[0]] + b[1..];
      }
    }
  }

  /** The order a `TreeSet<String>` keeps: ascending, so no string twice. */
  ghost predicate Ascending(s: seq<string>)
  {
    forall i, j :: 0 <= i < j < |s| ==> Below(s[i], s[j])
  }

  /** `TreeSet.add`: `x` goes into its place, unless it is already there. */
  function Insert(s: seq<string>, x: string): (r: seq<string>)
    ensures forall y :: y in r <==> y in s || y == x
    ensures |r| <= |s| + 1
  {
    if s == [] then [x]
    else if x == s[0] then s
    else if Below(x, s[0]) then [x] + s
    else [s[0]] + Insert(s[1..], x)
  }

  lemma {:induction false} InsertAscending(s: seq<string>, x: string)
    requires Ascending(s)
    ensures Ascending(Insert(s, x))
  {
    if s != [] && x != s[0] {
      var r := Insert(s, x);
      if Below(x, s[0]) {
        forall i, j | 0 <= i < j < |r|
          ensures Below(r[i], r[j])
        {
          if i == 0 && j > 1 {
            BelowTransitive(x, s[0], s[j - 1]);
          }
        }
      } else {
        BelowTotal(x, s[0]);
        InsertAscending(s[1..], x);
        var tail := Insert(s[1..], x);
        forall i, j | 0 <= i < j < |r|
          ensures Below(r[i], r[j])
        {
          if i == 0 {
            assert r[j] == tail[j - 1];
            assert r[j] in s[1..] || r[j] == x;
          } else {
            assert r[i] == tail[i - 1] && r[j] == tail[j - 1];
          }
        }
      }
    }
  }

  /**
   * `main` after `getPermutations`: the strings go into a `TreeSet`, which
   * drops repeats and sorts, and are counted as they are listed.
   */
  method SortedDistinct(permutations: seq<string>) returns (sorted: seq<string>, count: nat)
    ensures Ascending(sorted)
    ensures forall s :: s in sorted <==> s in permutations
    ensures count == |sorted| <= |permutations|
  {
    sorted := [];
    for i := 0 to |permutations|
      invariant Ascending(sorted) && |sorted| <= i
      invariant forall s :: s in sorted <==> s in permutations[..i]
    {
      InsertAscending(sorted, permutations[i]);
      sorted := Insert(sorted, permutations[i]);
      assert permutations[..i + 1] == permutations[..i] + [permutations[i]];
    }
    assert permutations[..|permutations|] == permutations;
    count := 0;
    for j := 0 to |sorted|
      invariant count == j
    {
      count := count + 1;
    }
  }

  /**
   * What `main` lists for a target string: every distinct arrangement of its
   * characters once, in ascending order, and how many there are; nothing
   * for the empty string.
   */
  method Report(target: string) returns (sorted: seq<string>, count: nat)
    ensures Ascending(sorted) && count == |sorted|
    ensures forall i, j :: 0 <= i < j < |sorted| ==> sorted[i] != sorted[j]
    ensures |target| >= 1 ==> forall s :: s in sorted <==> multiset(s) == multiset(target)
    ensures |target| == 0 ==> sorted == []
  {
    var permutations := GetPermutations(target);
    sorted, count := SortedDistinct(permutations);
    forall i, j | 0 <= i < j < |sorted|
      ensures sorted[i] != sorted[j]
    {
      BelowIrreflexive(sorted[i]);
    }
    if |target| >= 1 {
      forall s
        ensures s in sorted <==> multiset(s) == multiset(target)
      {
        PermutationsComplete(target, s);
      }
    } else {
      PermutationsCount(target);
    }
  }
}
