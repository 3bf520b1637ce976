/**
 The string operations that the signature parser is built from.
 */
module Text {
  import opened Options

  // Everything but one character.
  function Remove(s: string, c: char): string {
    if s == "" then "" else if s[0] == c then Remove(s[1..], c) else [s[0]] + Remove(s[1..], c)
  }

  lemma {:induction false} RemoveAppend(a: string, b: string, c: char)
    ensures Remove(a + b, c) == Remove(a, c) + Remove(b, c)
    decreases |a|
  {
    if a == "" {
      assert a + b == b;
    } else {
      assert (a + b)[1..] == a[1..] + b;
      RemoveAppend(a[1..], b, c);
    }
  }

  lemma RemoveAround(a: string, x: char, b: string, c: char)
    requires x != c
    ensures Remove(a + [x] + b, c) == Remove(a, c) + [x] + Remove(b, c)
  {
    assert a + [x] + b == a + ([x] + b) && ([x] + b)[1..] == b;
    RemoveAppend(a, [x] + b, c);
  }

  lemma {:induction false} RemoveMembers(s: string, c: char)
    ensures forall x :: x in Remove(s, c) <==> x in s && x != c
    ensures c !in s ==> Remove(s, c) == s
  {
    if s != "" {
      RemoveMembers(s[1..], c);
      assert s == [s[0]] + s[1..];
    }
  }

  // The position of the first occurrence of a character, or the length.
  function IndexOf(s: string, c: char): (i: nat)
    ensures i <= |s| && (i < |s| ==> s[i] == c) && c !in s[..i]
  {
    if s == "" || s[0] == c then 0
    else
      var i := IndexOf(s[1..], c) + 1;
      assert s[..i] == [s[0]] + s[1..][..i - 1];
      i
  }

  lemma {:induction false} IndexOfAppend(a: string, c: char, b: string)
    requires c !in a
    ensures IndexOf(a + [c] + b, c) == |a|
    decreases |a|
  {
    if a != "" {
      assert (a + [c] + b)[1..] == a[1..] + [c] + b;
      IndexOfAppend(a[1..], c, b);
    }
  }

  // ---------- split and join at a character ----------

  function Split(s: string, c: char): (parts: seq<string>)
    ensures parts != []
  {
    if s == "" then [""]
    else
      var rest := Split(s[1..], c);
      if s[0] == c then [""] + rest else [[s[0]] + rest[0]] + rest[1..]
  }

  function Join(parts: seq<string>, c: char): string {
    if parts == [] then "" else if |parts| == 1 then parts[0] else parts[0] + [c] + Join(parts[1..], c)
  }

  ghost predicate FreeOf(parts: seq<string>, c: char) {
    forall i :: 0 <= i < |parts| ==> c !in parts[i]
  }

  lemma {:induction false} SplitIsFree(s: string, c: char)
    ensures FreeOf(Split(s, c), c)
    ensures forall i, x :: 0 <= i < |Split(s, c)| && x in Split(s, c)[i] ==> x in s
  {
    if s != "" {
      SplitIsFree(s[1..], c);
      var parts, rest := Split(s, c), Split(s[1..], c);
      forall i, x | 0 <= i < |parts| && x in parts[i] ensures x in s {
        if s[0] == c {
          assert parts[i] == "" || parts[i] == rest[i - 1];
        } else {
          assert parts[i] == rest[i] || parts[i] == [s[0]] + rest[i];
        }
        assert x == s[0] || x in s[1..];
      }
    }
  }

  lemma {:induction false} JoinSplit(s: string, c: char)
    ensures Join(Split(s, c), c) == s
  {
    if s != "" {
      var rest := Split(s[1..], c);
      JoinSplit(s[1..], c);
      if s[0] == c {
        assert ([""] + rest)[1..] == rest;
        assert "" + [c] + s[1..] == s;
      } else {
        var head := [s[0]] + rest[0];
        assert ([head] + rest[1..])[1..] == rest[1..];
        assert s == [s[0]] + s[1..];
      }
    }
  }

  lemma {:induction false} SplitPart(a: string, c: char)
    requires c !in a
    ensures Split(a, c) == [a]
    ensures forall b :: Split(a + [c] + b, c) == [a] + Split(b, c)
    decreases |a|
  {
    if a == "" {
      forall b ensures Split(a + [c] + b, c) == [a] + Split(b, c) {
        assert a + [c] + b == [c] + b && ([c] + b)[1..] == b;
      }
    } else {
      SplitPart(a[1..], c);
      assert [a[0]] + a[1..] == a && Split(a[1..], c) == [a[1..]];
      forall b ensures Split(a + [c] + b, c) == [a] + Split(b, c) {
        var s := a + [c] + b;
        assert s[1..] == a[1..] + [c] + b && s[0] == a[0];
        assert Split(s[1..], c) == [a[1..]] + Split(b, c);
        assert [s[0]] + a[1..] == a;
      }
    }
  }

  /** Splitting takes a joined text apart again exactly when no part holds the separator. */
  lemma {:induction false} SplitJoinIff(parts: seq<string>, c: char)
    requires parts != []
    ensures Split(Join(parts, c), c) == parts <==> FreeOf(parts, c)
    decreases |parts|
  {
    if FreeOf(parts, c) {
      SplitJoin(parts, c);
    } else if Split(Join(parts, c), c) == parts {
      SplitIsFree(Join(parts, c), c);
      assert false;
    }
  }

  lemma {:induction false} SplitJoin(parts: seq<string>, c: char)
    requires parts != [] && FreeOf(parts, c)
    ensures Split(Join(parts, c), c) == parts
    decreases |parts|
  {
    SplitPart(parts[0], c);
    if |parts| > 1 {
      SplitJoin(parts[1..], c);
      assert parts == [parts[0]] + parts[1..];
    }
  }

  lemma {:induction false} JoinMembers(parts: seq<string>, c: char)
    ensures forall x :: x in Join(parts, c) ==> x == c || exists i :: 0 <= i < |parts| && x in parts[i]
    decreases |parts|
  {
    if |parts| > 1 {
      JoinMembers(parts[1..], c);
      forall x | x in Join(parts, c) && x != c ensures exists i :: 0 <= i < |parts| && x in parts[i] {
        if x !in parts[0] {
          var i :| 0 <= i < |parts| - 1 && x in parts[1..][i];
          assert x in parts[i + 1];
        }
      }
    }
  }

  // ---------- cutting at a word ----------

  predicate StartsWith(s: string, word: string) {
    |word| <= |s| && s[..|word|] == word
  }

  lemma StartsWithChars(s: string, word: string)
    ensures StartsWith(s, word) ==> forall k :: 0 <= k < |word| ==> s[k] == word[k]
  {
    if StartsWith(s, word) {
      assert forall k :: 0 <= k < |word| ==> s[k] == s[..|word|][k];
    }
  }

  lemma StartsWithAppend(a: string, b: string, word: string)
    requires |word| <= |a|
    ensures StartsWith(a + b, word) <==> StartsWith(a, word)
  {
    assert (a + b)[..|word|] == a[..|word|];
  }

  predicate Contains(s: string, word: string) {
    StartsWith(s, word) || (s != "" && Contains(s[1..], word))
  }

  // What stands before the first occurrence of a word; everything, if there is none.
  function Cut(s: string, word: string): string {
    if s == "" || StartsWith(s, word) then "" else [s[0]] + Cut(s[1..], word)
  }

  lemma {:induction false} CutMeaning(s: string, word: string)
    requires word != ""
    ensures var n := |Cut(s, word)|; n <= |s| && Cut(s, word) == s[..n]
    ensures if Contains(s, word) then StartsWith(s[|Cut(s, word)|..], word) else Cut(s, word) == s
    ensures !Contains(Cut(s, word), word)
  {
    if s != "" && !StartsWith(s, word) {
      CutMeaning(s[1..], word);
      var c := Cut(s, word);
      assert c[1..] == Cut(s[1..], word);
      assert s[|c|..] == s[1..][|c| - 1..];
      assert forall k :: 0 <= k <= |c| ==> c[..k] == s[..k];
    }
  }
}
