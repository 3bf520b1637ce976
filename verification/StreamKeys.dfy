/**
 The subscription key: the lower-cased text "chain/address/event name". Lower-casing works
 character by character; all that is used of it is that it neither makes nor removes a
 slash and leaves digits and the minus sign alone.
 */
module StreamKeys {
  import opened Numerals

  ghost predicate IsLowering(f: char -> char) {
    && (forall c :: f(c) == '/' <==> c == '/')
    && (forall c :: '0' <= c <= '9' || c == '-' ==> f(c) == c)
  }

  function AsciiLower(c: char): char {
    if 'A' <= c <= 'Z' then c - 'A' + 'a' else c
  }

  type Lowering = f: char -> char | IsLowering(f) ghost witness AsciiLower

  function Folded(f: Lowering, s: string): (r: string)
    ensures |r| == |s| && forall i :: 0 <= i < |s| ==> r[i] == f(s[i])
  {
    if s == [] then [] else [f(s[0])] + Folded(f, s[1..])
  }

  function Decimal(n: int): string {
    if n < 0 then "-" + Format(-n, 10) else Format(n, 10)
  }

  function Key(f: Lowering, chain: int, address: string, name: string): string {
    Folded(f, Decimal(chain) + "/" + address + "/" + name)
  }

  lemma FoldedConcat(f: Lowering, a: string, b: string)
    ensures Folded(f, a + b) == Folded(f, a) + Folded(f, b)
  {
  }

  predicate NumberChar(c: char) {
    '0' <= c <= '9' || c == '-'
  }

  lemma DecimalChars(n: int)
    ensures forall i :: 0 <= i < |Decimal(n)| ==> NumberChar(Decimal(n)[i])
  {
    FormatDigits(if n < 0 then -n else n, 10);
    forall i | 0 <= i < |Decimal(n)| ensures NumberChar(Decimal(n)[i]) {
      var s := Format(if n < 0 then -n else n, 10);
      if n < 0 {
        assert i > 0 ==> Decimal(n)[i] == s[i - 1] && LowerDigit(s[i - 1], 10);
      } else {
        assert LowerDigit(s[i], 10);
      }
    }
  }

  lemma DecimalInjective(m: int, n: int)
    requires Decimal(m) == Decimal(n)
    ensures m == n
  {
    var a, b := if m < 0 then -m else m, if n < 0 then -n else n;
    FormatDigits(a, 10);
    FormatDigits(b, 10);
    assert LowerDigit(Format(a, 10)[0], 10) && LowerDigit(Format(b, 10)[0], 10);
    if m < 0 { assert Decimal(m)[0] == '-'; }
    if n < 0 { assert Decimal(n)[0] == '-'; }
    if m < 0 {
      assert Decimal(m)[1..] == Format(a, 10) && Decimal(n)[1..] == Format(b, 10);
    }
    FormatMeaning(a, 10);
    FormatMeaning(b, 10);
  }

  // The key without the outer lower-casing.
  lemma KeyParts(f: Lowering, chain: int, address: string, name: string)
    ensures Key(f, chain, address, name) == Decimal(chain) + "/" + Folded(f, address) + "/" + Folded(f, name)
  {
    DecimalChars(chain);
    var d := Decimal(chain);
    assert Folded(f, d) == d by {
      forall i | 0 <= i < |d| ensures f(d[i]) == d[i] { assert NumberChar(d[i]); }
    }
    FoldedConcat(f, d + "/" + address + "/", name);
    FoldedConcat(f, d + "/" + address, "/");
    FoldedConcat(f, d + "/", address);
    FoldedConcat(f, d, "/");
    assert Folded(f, "/") == "/";
  }

  lemma SlashStays(f: Lowering, s: string)
    ensures '/' in Folded(f, s) <==> '/' in s
  {
    if '/' in s {
      var i :| 0 <= i < |s| && s[i] == '/';
      assert Folded(f, s)[i] == '/';
    }
    if '/' in Folded(f, s) {
      var i :| 0 <= i < |s| && Folded(f, s)[i] == '/';
      assert s[i] == '/';
    }
  }

  // Two ways to cut one text at a slash agree when neither front holds a slash.
  lemma SameCut(a: string, b: string, a': string, b': string)
    requires a + "/" + b == a' + "/" + b'
    requires '/' !in a && '/' !in a'
    ensures a == a' && b == b'
  {
    var t := a + "/" + b;
    assert forall k :: 0 <= k < |a| ==> t[k] == a[k];
    assert forall k :: 0 <= k < |a'| ==> t[k] == a'[k];
    assert t[|a|] == '/' && t[|a'|] == '/';
    assert |a| == |a'|;
    assert t[..|a|] == a && t[..|a'|] == a';
    assert t[|a| + 1..] == b && t[|a'| + 1..] == b';
  }

  // A text with one slash can be cut at a slash in one way only.
  lemma OnlyCut(a: string, b: string, a': string, b': string)
    requires a + "/" + b == a' + "/" + b'
    requires '/' !in a && '/' !in b
    ensures a == a' && b == b'
  {
    var t := a + "/" + b;
    assert forall k :: 0 <= k < |a| ==> t[k] == a[k];
    assert forall k :: |a| < k < |t| ==> t[k] == b[k - |a| - 1];
    assert t[|a'|] == '/';
    assert |a| == |a'|;
    assert t[..|a'|] == a' && t[|a'| + 1..] == b';
    assert t[..|a|] == a && t[|a| + 1..] == b;
  }

  // Three parts joined by slashes, all but the last two of the second text free of them.
  lemma CutTwice(d: string, a: string, n: string, d': string, a': string, n': string)
    requires d + "/" + a + "/" + n == d' + "/" + a' + "/" + n'
    requires '/' !in d && '/' !in d' && '/' !in a && '/' !in n
    ensures d == d' && a == a' && n == n'
  {
    assert d + "/" + a + "/" + n == d + "/" + (a + "/" + n);
    assert d' + "/" + a' + "/" + n' == d' + "/" + (a' + "/" + n');
    SameCut(d, a + "/" + n, d', a' + "/" + n');
    OnlyCut(a, n, a', n');
  }

  /** Slash-free addresses and names get the same key exactly when chain ids are equal and address
      and name are equal up to case. */
  lemma KeysMatchIff(f: Lowering, c: int, a: string, n: string, c': int, a': string, n': string)
    requires '/' !in a && '/' !in n && '/' !in a' && '/' !in n'
    ensures Key(f, c, a, n) == Key(f, c', a', n') <==>
            c == c' && Folded(f, a) == Folded(f, a') && Folded(f, n) == Folded(f, n')
  {
    KeyParts(f, c, a, n);
    KeyParts(f, c', a', n');
    if Key(f, c, a, n) == Key(f, c', a', n') { SplitKey(f, c, a, n, c', a', n'); }
  }

  lemma SplitKey(f: Lowering, c: int, a: string, n: string, c': int, a': string, n': string)
    requires Key(f, c, a, n) == Key(f, c', a', n')
    requires '/' !in a && '/' !in n
    ensures c == c' && Folded(f, a) == Folded(f, a') && Folded(f, n) == Folded(f, n')
  {
    KeyParts(f, c, a, n);
    KeyParts(f, c', a', n');
    NoSlashInDecimal(c);
    NoSlashInDecimal(c');
    SlashStays(f, a);
    SlashStays(f, n);
    CutTwice(Decimal(c), Folded(f, a), Folded(f, n), Decimal(c'), Folded(f, a'), Folded(f, n'));
    DecimalInjective(c, c');
  }

  lemma NoSlashInDecimal(n: int)
    ensures '/' !in Decimal(n)
  {
    DecimalChars(n);
    assert !NumberChar('/');
  }

  // No other subscription shares the key.
  ghost predicate OwnKey(f: Lowering, c: int, a: string, n: string) {
    forall c', a', n' :: Key(f, c', a', n') == Key(f, c, a, n) ==>
      c' == c && Folded(f, a') == Folded(f, a) && Folded(f, n') == Folded(f, n)
  }

  lemma OtherCut(f: Lowering, c: int, x: string, y: string, z: string)
    ensures Key(f, c, x, y + "/" + z) == Key(f, c, x + "/" + y, z)
  {
    var d := Decimal(c);
    assert (d + "/" + (x + "/" + y)) == (d + "/" + x) + ("/" + y);
    assert (d + "/" + (x + "/" + y)) + "/" + z == (d + "/" + x) + "/" + (y + "/" + z);
  }

  /** A subscription has its key to itself, up to case, exactly when neither its address nor its
      name contains a slash. */
  lemma OwnKeyIff(f: Lowering, c: int, a: string, n: string)
    ensures OwnKey(f, c, a, n) <==> '/' !in a && '/' !in n
  {
    if '/' in a {
      SlashInAddress(f, c, a, n);
    } else if '/' in n {
      SlashInName(f, c, a, n);
    } else {
      forall c', a', n' | Key(f, c', a', n') == Key(f, c, a, n)
        ensures c' == c && Folded(f, a') == Folded(f, a) && Folded(f, n') == Folded(f, n)
      {
        SplitKey(f, c, a, n, c', a', n');
      }
    }
  }

  lemma SlashInAddress(f: Lowering, c: int, a: string, n: string)
    requires '/' in a
    ensures !OwnKey(f, c, a, n)
  {
    var i :| 0 <= i < |a| && a[i] == '/';
    var x, y := a[..i], a[i + 1..];
    assert a == x + "/" + y;
    OtherCut(f, c, x, y, n);
    NotOwn(f, c, a, n, x, y + "/" + n);
  }

  lemma SlashInName(f: Lowering, c: int, a: string, n: string)
    requires '/' in n
    ensures !OwnKey(f, c, a, n)
  {
    var i :| 0 <= i < |n| && n[i] == '/';
    var y, z := n[..i], n[i + 1..];
    assert n == y + "/" + z;
    OtherCut(f, c, a, y, z);
    NotOwn(f, c, a, n, a + "/" + y, z);
  }

  lemma NotOwn(f: Lowering, c: int, a: string, n: string, a': string, n': string)
    requires Key(f, c, a', n') == Key(f, c, a, n) && |a'| != |a|
    ensures !OwnKey(f, c, a, n)
  {
    assert |Folded(f, a')| != |Folded(f, a)|;
  }

  /** For instance, name `c` of address `a/b` and name `b/c` of address `a` share a key. */
  lemma SharedKey(f: Lowering)
    ensures Key(f, 1, "a/b", "c") == Key(f, 1, "a", "b/c") && !OwnKey(f, 1, "a/b", "c")
  {
    assert "a/b" == "a" + "/" + "b" && "b/c" == "b" + "/" + "c";
    OtherCut(f, 1, "a", "b", "c");
    assert '/' in "a/b" by { assert "a/b"[1] == '/'; }
    OwnKeyIff(f, 1, "a/b", "c");
  }
}
