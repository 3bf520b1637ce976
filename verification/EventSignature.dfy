/**
 Event signatures: the text a contract is registered with is brought into a canonical form,
 `name(type,...)`, which is then hashed. The hash is a parameter.
 */
module EventSignature {
  import opened Options
  import opened Text

  const INDEXED := "indexed"

  /** The text that is hashed. */
  function Canonical(sig: string): Option<string> {
    Canonicalise(Remove(sig, ' '))
  }

  function Canonicalise(s: string): Option<string> {
    var i := IndexOf(s, '(');
    if i == |s| || s[|s| - 1] != ')' then None
    else Some(s[..i] + "(" + Join(CutAll(Split(s[i + 1..|s| - 1], ',')), ',') + ")")
  }

  function CutAll(params: seq<string>): (r: seq<string>)
    ensures |r| == |params| && forall k :: 0 <= k < |params| ==> r[k] == Cut(params[k], INDEXED)
  {
    if params == [] then [] else [Cut(params[0], INDEXED)] + CutAll(params[1..])
  }

  /** The parser as written. Its tests for a space inside a parameter come too late: all spaces are
      gone by then, and those branches are never taken. */
  method ParseEventSignature<H>(readableSig: string, keccak: string -> H) returns (hash: Option<H>)
    ensures hash == match Canonical(readableSig) case None => None case Some(text) => Some(keccak(text))
  {
    var s := Remove(readableSig, ' ');
    var i := IndexOf(s, '(');
    if i == |s| || s[|s| - 1] != ')' { return None; }
    var eventName, params := s[..i], s[i + 1..|s| - 1];
    RemoveMembers(readableSig, ' ');
    ghost var _ := MiddleParts(s, i + 1, |s| - 1);
    var paramList := ParamArray(Split(params, ','));
    CutParams(paramList);
    hash := Some(keccak(eventName + "(" + Join(paramList[..], ',') + ")"));
  }

  method CutParams(paramList: array<string>)
    requires FreeOf(paramList[..], ' ')
    modifies paramList
    ensures paramList[..] == CutAll(old(paramList[..]))
  {
    ghost var parts := paramList[..];
    for i := 0 to paramList.Length
      invariant forall k :: 0 <= k < i ==> paramList[k] == Cut(parts[k], INDEXED)
      invariant forall k :: i <= k < paramList.Length ==> paramList[k] == parts[k]
    {
      assert ' ' !in parts[i];
      paramList[i] := CutParam(paramList[i]);
    }
  }

  method CutParam(param: string) returns (cut: string)
    requires ' ' !in param
    ensures cut == Cut(param, INDEXED)
  {
    CutMeaning(param, INDEXED);
    cut := param;
    if Contains(param, INDEXED) {
      cut := Cut(param, INDEXED);
      if ' ' in cut { cut := Cut(cut, " "); }
    } else if ' ' in param {
      cut := Cut(param, " ");
    }
  }

  method ParamArray(params: seq<string>) returns (a: array<string>)
    ensures fresh(a) && a[..] == params
  {
    a := new string[|params|](i requires 0 <= i < |params| => params[i]);
  }

  // ---------- the canonical form ----------

  /** Only the text without its spaces matters. */
  lemma SpacesDoNotMatter(a: string, b: string)
    requires Remove(a, ' ') == Remove(b, ' ')
    ensures Canonical(a) == Canonical(b)
    ensures Canonical(a) == Canonical(Remove(a, ' '))
  {
    RemoveMembers(a, ' ');
    RemoveMembers(Remove(a, ' '), ' ');
  }

  // A name and parameter texts, put together.
  function Assemble(name: string, params: seq<string>): string {
    name + "(" + Join(params, ',') + ")"
  }

  lemma CanonicalOf(name: string, params: seq<string>)
    requires '(' !in name && ' ' !in name && FreeOf(params, ',') && FreeOf(params, ' ')
    ensures Canonical(Assemble(name, params)) == Some(Assemble(name, CutAll(params)))
  {
    var s, joined := Assemble(name, params), Join(params, ',');
    AssembledHasNoSpaces(name, params);
    assert s == name + ['('] + (joined + ")");
    IndexOfAppend(name, '(', joined + ")");
    assert s[..|name|] == name && s[|name| + 1..|s| - 1] == joined;
    if params != [] {
      SplitJoin(params, ',');
    } else {
      assert CutAll([""]) == [""] && Split("", ',') == [""];
    }
  }

  lemma AssembledHasNoSpaces(name: string, params: seq<string>)
    requires ' ' !in name && FreeOf(params, ' ')
    ensures Remove(Assemble(name, params), ' ') == Assemble(name, params)
  {
    JoinMembers(params, ',');
    RemoveMembers(Assemble(name, params), ' ');
  }

  // What a canonical text is made of.
  lemma CanonicalParts(sig: string) returns (name: string, params: seq<string>)
    requires Canonical(sig).Some?
    ensures '(' !in name && ' ' !in name && FreeOf(params, ',') && FreeOf(params, ' ')
    ensures Canonical(sig) == Some(Assemble(name, CutAll(params)))
    ensures params != [] && Remove(sig, ' ') == Assemble(name, params)
  {
    var s := Remove(sig, ' ');
    var i := IndexOf(s, '(');
    RemoveMembers(sig, ' ');
    SplitAround(s, i);
    name := s[..i];
    params := MiddleParts(s, i + 1, |s| - 1);
    assert forall x :: x in name ==> x in s;
  }

  lemma SplitAround(s: string, i: nat)
    requires i < |s| && s[i] == '(' && s[|s| - 1] == ')'
    ensures i + 1 <= |s| - 1 && s == s[..i] + "(" + s[i + 1..|s| - 1] + ")"
  {
  }

  lemma MiddleParts(s: string, lo: nat, hi: nat) returns (params: seq<string>)
    requires lo <= hi <= |s| && ' ' !in s
    ensures params == Split(s[lo..hi], ',') && params != [] && Join(params, ',') == s[lo..hi]
    ensures FreeOf(params, ',') && FreeOf(params, ' ')
  {
    var middle := s[lo..hi];
    params := Split(middle, ',');
    SplitIsFree(middle, ',');
    JoinSplit(middle, ',');
    assert forall x :: x in middle ==> x in s;
    assert forall i :: 0 <= i < |params| ==> ' ' in params[i] ==> ' ' in middle;
  }

  /** Parsing the canonical text again gives the same text: the comma-separated parts come back as
      they were, and a part that was cut holds no further word to cut at. */
  lemma CanonicalIsIdempotent(sig: string)
    requires Canonical(sig).Some?
    ensures Canonical(Canonical(sig).value) == Canonical(sig)
  {
    var name, params := CanonicalParts(sig);
    forall k | 0 <= k < |params|
      ensures ',' !in CutAll(params)[k] && ' ' !in CutAll(params)[k] && CutAll(CutAll(params))[k] == CutAll(params)[k]
    {
      CutMeaning(params[k], INDEXED);
      CutMeaning(CutAll(params)[k], INDEXED);
    }
    CanonicalOf(name, CutAll(params));
    assert CutAll(CutAll(params)) == CutAll(params);
  }

  // The name for display: what stands before the first parenthesis.
  function ExtractEventName(sig: string): Option<string> {
    var i := IndexOf(sig, '(');
    if i == |sig| || i == 0 || sig[|sig| - 1] != ')' then None else Some(sig[..i])
  }

  /** The name for display is that of the canonical text up to spaces; it is found exactly when the
      text is valid, has a name, and does not end in a space. */
  lemma NameOfCanonical(sig: string)
    ensures ExtractEventName(sig).Some? <==>
            Canonical(sig).Some? && sig[0] != '(' && sig[|sig| - 1] != ' '
    ensures ExtractEventName(sig).Some? ==>
            NamePart(Canonical(sig).value) == Remove(ExtractEventName(sig).value, ' ')
  {
    NameFoundIff(sig);
    if ExtractEventName(sig).Some? {
      StrippedName(sig);
      CanonicalName(sig);
    }
  }

  lemma NameFoundIff(sig: string)
    ensures ExtractEventName(sig).Some? <==>
            Canonical(sig).Some? && sig[0] != '(' && sig[|sig| - 1] != ' '
  {
    StrippedName(sig);
    RemoveMembers(sig, ' ');
    if sig != "" && sig[|sig| - 1] != ' ' { LastKept(sig); }
  }

  function NamePart(s: string): string {
    s[..IndexOf(s, '(')]
  }

  lemma StrippedName(sig: string)
    ensures NamePart(Remove(sig, ' ')) == Remove(NamePart(sig), ' ')
    ensures IndexOf(Remove(sig, ' '), '(') < |Remove(sig, ' ')| <==> IndexOf(sig, '(') < |sig|
  {
    var i := IndexOf(sig, '(');
    RemoveMembers(sig, ' ');
    if i < |sig| {
      var head, tail := sig[..i], sig[i + 1..];
      RemoveMembers(head, ' ');
      assert sig == head + ['('] + tail;
      RemoveAround(head, '(', tail, ' ');
      IndexOfAppend(Remove(head, ' '), '(', Remove(tail, ' '));
    } else {
      assert sig[..i] == sig;
    }
  }

  lemma CanonicalName(sig: string)
    requires Canonical(sig).Some?
    ensures NamePart(Canonical(sig).value) == NamePart(Remove(sig, ' '))
  {
    var name, params := CanonicalParts(sig);
    NameOfAssembled(name, params);
    NameOfAssembled(name, CutAll(params));
  }

  lemma NameOfAssembled(name: string, params: seq<string>)
    requires '(' !in name
    ensures NamePart(Assemble(name, params)) == name
  {
    assert Assemble(name, params) == name + ['('] + (Join(params, ',') + ")");
    IndexOfAppend(name, '(', Join(params, ',') + ")");
  }

  lemma LastKept(sig: string)
    requires sig != "" && sig[|sig| - 1] != ' '
    ensures Remove(sig, ' ') != "" && Remove(sig, ' ')[|Remove(sig, ' ')| - 1] == sig[|sig| - 1]
  {
    var n := |sig| - 1;
    assert sig == sig[..n] + [sig[n]];
    RemoveAppend(sig[..n], [sig[n]], ' ');
    assert [sig[n]][1..] == "";
  }

  // ---------- declarations ----------

  // A parameter as it is written in a contract: `type`, `type name`, `type indexed name`.
  datatype Param = Param(typ: string, indexed: bool, name: string)

  function Written(p: Param): string {
    p.typ + (if p.indexed then " indexed" else "") + (if p.name != "" then " " + p.name else "")
  }

  function Texts(ps: seq<Param>): (r: seq<string>)
    ensures |r| == |ps| && forall k :: 0 <= k < |ps| ==> r[k] == Written(ps[k])
  {
    if ps == [] then [] else [Written(ps[0])] + Texts(ps[1..])
  }

  function Types(ps: seq<Param>): (r: seq<string>)
    ensures |r| == |ps| && forall k :: 0 <= k < |ps| ==> r[k] == Remove(ps[k].typ, ' ')
  {
    if ps == [] then [] else [Remove(ps[0].typ, ' ')] + Types(ps[1..])
  }

  predicate Plain(p: Param) {
    ',' !in p.typ && ',' !in p.name && !Contains(Remove(p.typ, ' '), INDEXED)
  }

  // The parameters whose type survives: marked as indexed, or unnamed -- or named `indexed...`.
  predicate Recognised(p: Param) {
    p.indexed || Remove(p.name, ' ') == "" || StartsWith(Remove(p.name, ' '), INDEXED)
  }

  // The word does not overlap itself: it cannot begin inside t and again right after it.
  lemma StartsWithOverlap(t: string, u: string)
    requires t != "" && !StartsWith(t, INDEXED) && StartsWith(t + u, INDEXED)
    ensures u != "" && !StartsWith(u, INDEXED)
  {
    if |t| >= 7 { StartsWithAppend(t, u, INDEXED); }
    StartsWithChars(t + u, INDEXED);
    StartsWithChars(u, INDEXED);
    assert u == "" ==> t + u == t;
    assert u != "" ==> u[0] == (t + u)[|t|];
  }

  /** Cutting a type followed by more text leaves the type exactly when the rest is empty or starts
      with the word. */
  lemma {:induction false} CutTypeIff(t: string, u: string)
    requires !Contains(t, INDEXED)
    ensures Cut(t + u, INDEXED) == t <==> u == "" || StartsWith(u, INDEXED)
    decreases |t|
  {
    if t == "" {
      assert t + u == u;
    } else if StartsWith(t + u, INDEXED) {
      StartsWithOverlap(t, u);
    } else {
      assert (t + u)[1..] == t[1..] + u;
      CutTypeIff(t[1..], u);
      assert t == [t[0]] + t[1..];
    }
  }

  lemma StripSpace(x: string)
    ensures Remove(" " + x, ' ') == Remove(x, ' ')
  {
    assert (" " + x)[1..] == x;
  }

  lemma StripIndexed()
    ensures Remove(" indexed", ' ') == INDEXED
  {
    RemoveMembers(INDEXED, ' ');
    StripSpace(INDEXED);
    assert " " + INDEXED == " indexed";
  }

  lemma WrittenStripped(p: Param)
    ensures Remove(Written(p), ' ')
            == Remove(p.typ, ' ') + ((if p.indexed then INDEXED else "") + Remove(p.name, ' '))
  {
    var mark, name := if p.indexed then " indexed" else "", if p.name != "" then " " + p.name else "";
    assert Written(p) == p.typ + (mark + name);
    RemoveAppend(p.typ, mark + name, ' ');
    RemoveAppend(mark, name, ' ');
    StripSpace(p.name);
    StripIndexed();
  }

  lemma RecognisedIff(p: Param)
    requires Plain(p)
    ensures Cut(Remove(Written(p), ' '), INDEXED) == Remove(p.typ, ' ') <==> Recognised(p)
  {
    var name := Remove(p.name, ' ');
    var rest := (if p.indexed then INDEXED else "") + name;
    WrittenStripped(p);
    CutTypeIff(Remove(p.typ, ' '), rest);
    if p.indexed { assert rest[..7] == INDEXED; }
  }

  lemma {:induction false} RemoveJoin(parts: seq<string>)
    ensures Remove(Join(parts, ','), ' ') == Join(Stripped(parts), ',')
    decreases |parts|
  {
    if |parts| > 1 {
      RemoveJoin(parts[1..]);
      RemoveAppend(parts[0] + [','], Join(parts[1..], ','), ' ');
      RemoveAppend(parts[0], [','], ' ');
      assert Stripped(parts)[1..] == Stripped(parts[1..]);
    }
  }

  function Stripped(parts: seq<string>): (r: seq<string>)
    ensures |r| == |parts| && forall k :: 0 <= k < |parts| ==> r[k] == Remove(parts[k], ' ')
  {
    if parts == [] then [] else [Remove(parts[0], ' ')] + Stripped(parts[1..])
  }

  lemma RemoveAssemble(name: string, parts: seq<string>)
    ensures Remove(Assemble(name, parts), ' ') == Assemble(Remove(name, ' '), Stripped(parts))
  {
    var j := Join(parts, ',');
    RemoveJoin(parts);
    RemoveAppend(name + "(" + j, ")", ' ');
    RemoveAppend(name + "(", j, ' ');
    RemoveAppend(name, "(", ' ');
  }

  lemma DeclarationCanonical(name: string, ps: seq<Param>)
    requires '(' !in name && forall k :: 0 <= k < |ps| ==> Plain(ps[k])
    ensures Canonical(Assemble(name, Texts(ps))) == Some(Assemble(Remove(name, ' '), CutAll(Stripped(Texts(ps)))))
    ensures FreeOf(Stripped(Texts(ps)), ',')
  {
    var texts := Stripped(Texts(ps));
    RemoveAssemble(name, Texts(ps));
    RemoveMembers(name, ' ');
    forall k | 0 <= k < |ps| ensures ',' !in texts[k] && ' ' !in texts[k] {
      RemoveMembers(Written(ps[k]), ' ');
    }
    CanonicalOf(Remove(name, ' '), texts);
    RemoveMembers(Assemble(Remove(name, ' '), texts), ' ');
    SpacesDoNotMatter(Assemble(name, Texts(ps)), Assemble(name, Texts(ps)));
  }

  /** A declaration is brought into its canonical form exactly when each of its parameters is marked
      as indexed or has no name (or a name that itself starts with `indexed`): the name of any
      other parameter stays glued to its type. */
  lemma DeclarationIff(name: string, ps: seq<Param>)
    requires '(' !in name && forall k :: 0 <= k < |ps| ==> Plain(ps[k])
    ensures Canonical(Assemble(name, Texts(ps))) == Some(Assemble(Remove(name, ' '), Types(ps)))
            <==> forall k :: 0 <= k < |ps| ==> Recognised(ps[k])
  {
    var cuts, types := CutAll(Stripped(Texts(ps))), Types(ps);
    DeclarationCanonical(name, ps);
    forall k | 0 <= k < |ps|
      ensures ',' !in cuts[k] && ',' !in types[k] && (cuts[k] == types[k] <==> Recognised(ps[k]))
    {
      RecognisedIff(ps[k]);
      CutMeaning(Stripped(Texts(ps))[k], INDEXED);
      RemoveMembers(ps[k].typ, ' ');
    }
    if forall k :: 0 <= k < |ps| ==> Recognised(ps[k]) {
      assert cuts == types;
    } else if Assemble(Remove(name, ' '), cuts) == Assemble(Remove(name, ' '), types) {
      AssembleInjective(Remove(name, ' '), cuts, types);
    }
  }

  lemma AssembleInjective(name: string, a: seq<string>, b: seq<string>)
    requires Assemble(name, a) == Assemble(name, b) && |a| == |b|
    requires FreeOf(a, ',') && FreeOf(b, ',')
    ensures a == b
  {
    var n := |name| + 1;
    var s, t := Assemble(name, a), Assemble(name, b);
    assert s[n..|s| - 1] == Join(a, ',') && t[n..|t| - 1] == Join(b, ',');
    if a != [] {
      SplitJoin(a, ',');
      SplitJoin(b, ',');
    }
  }

  /** For instance, `T(a b)`, with a parameter of type `a` named `b`, does not become `T(a)`. */
  lemma NameStaysGlued(p: Param)
    requires p == Param("a", false, "b")
    ensures Assemble("T", Texts([p])) == "T(a b)"
    ensures Canonical(Assemble("T", Texts([p]))) != Some("T(a)")
  {
    OneLetter('a');
    OneLetter('b');
    OneLetter('T');
    assert Written(p) == "a b" && Texts([p]) == ["a b"] && Types([p]) == ["a"];
    assert Plain(p) && !Recognised(p);
    assert Assemble("T", Types([p])) == "T(a)";
    DeclarationIff("T", [p]);
    assert ![p][0].indexed && !Recognised([p][0]);
  }

  lemma OneLetter(c: char)
    requires c != ' '
    ensures Remove([c], ' ') == [c] && !Contains([c], INDEXED) && !StartsWith([c], INDEXED)
  {
    assert [c][1..] == "" && Remove("", ' ') == "";
    assert |INDEXED| == 7;
  }
}
