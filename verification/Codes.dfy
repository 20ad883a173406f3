/** Permission codes: a reference (service, category, action) printed as one hyphenated code, the parser that takes
    codes apart again, and the catalog that looks definitions up by code. */
module Codes {
  import opened Text
  import opened Wrappers

  datatype Reference = Reference(service: string, category: string, action: string)

  datatype Definition = Definition(reference: Reference, name: string, description: string)

  // ---------------------------------------------------------------------------------------------
  // Printing and parsing

  /** The string without its spaces (U+0020 alone, as `strings.ReplaceAll(s, " ", "")` does). */
  function Squeeze(s: string): (r: string)
    ensures forall c :: c in r <==> c in s && c != ' '
    ensures ' ' !in s ==> r == s
  {
    if s == "" then "" else (if s[0] == ' ' then "" else [s[0]]) + Squeeze(s[1..])
  }

  /** Squeezing works piece by piece: spaces go and every other character stays where it is among the rest. */
  lemma {:induction false} SqueezePieces(a: string, c: char, b: string)
    ensures Squeeze(a + [c] + b) == Squeeze(a) + (if c == ' ' then "" else [c]) + Squeeze(b)
  {
    hide Squeeze;
    var s := a + [c] + b;
    SqueezeUnfold(s);
    if a == "" {
      SqueezeNothing();
      assert s[1..] == b;
    } else {
      SqueezeUnfold(a);
      assert s[1..] == a[1..] + [c] + b;
      SqueezePieces(a[1..], c, b);
    }
  }

  lemma {:induction false} SqueezeEnds(s: string)
    requires s != "" && s[0] != ' ' && s[|s| - 1] != ' '
    ensures Squeeze(s) != "" && Squeeze(s)[0] == s[0] && Squeeze(s)[|Squeeze(s)| - 1] == s[|s| - 1]
  {
    hide Squeeze;
    SqueezeLast(s);
    SqueezeUnfold(s);
  }

  lemma {:induction false} SqueezeLast(s: string)
    requires s != "" && s[|s| - 1] != ' '
    ensures Squeeze(s) != "" && Squeeze(s)[|Squeeze(s)| - 1] == s[|s| - 1]
  {
    hide Squeeze;
    SqueezeUnfold(s);
    if |s| > 1 {
      SqueezeLast(s[1..]);
    } else {
      assert s == [s[0]] && s[1..] == "";
      SqueezeNothing();
    }
  }

  lemma SqueezeUnfold(s: string)
    requires s != ""
    ensures Squeeze(s) == (if s[0] == ' ' then "" else [s[0]]) + Squeeze(s[1..])
  {
  }

  lemma SqueezeNothing()
    ensures Squeeze("") == ""
  {
  }

  function Normalize(s: string): string {
    ToLower(Squeeze(Trim(s)))
  }

  function Normalized(r: Reference): Reference {
    Reference(Normalize(r.service), Normalize(r.category), Normalize(r.action))
  }

  function GenerateCode(r: Reference): string {
    Normalize(r.service) + "-" + Normalize(r.category) + "-" + Normalize(r.action)
  }

  function ParseCode(code: string): Option<Reference> {
    match SplitOnce(ToLower(Trim(code)), '-')
    case Whole => None
    case Halves(first, rest) =>
      match SplitOnce(rest, '-')
      case Whole => None
      case Halves(second, third) =>
        var r := Reference(Trim(first), Trim(second), Trim(third));
        if r.service == "" || r.category == "" || r.action == "" then None else Some(r)
  }

  /** A normalised part is trimmed and in lower case; it is empty exactly for blank text and keeps every hyphen. */
  lemma NormalizeShape(s: string)
    ensures Trimmed(Normalize(s)) && LowerCase(Normalize(s))
    ensures Normalize(s) == "" <==> Trim(s) == ""
    ensures '-' in Normalize(s) <==> '-' in Trim(s)
  {
    var t := Trim(s);
    if t != "" {
      SqueezeEnds(t);
    }
    var u := Squeeze(t);
    assert Trimmed(u);
    if '-' in u {
      var i :| 0 <= i < |u| && u[i] == '-';
      assert ToLower(u)[i] == LowerChar('-') == '-';
    }
    if '-' in ToLower(u) {
      var i :| 0 <= i < |u| && ToLower(u)[i] == '-';
      assert LowerChar(u[i]) == '-' && u[i] == '-';
    }
  }

  /** Normalising twice is normalising once. */
  lemma NormalizeIdempotent(s: string)
    ensures Normalize(Normalize(s)) == Normalize(s)
  {
    hide Trim, Squeeze, ToLower, LowerCase, Trimmed;
    NormalizeShape(s);
    NormalizeNoSpace(s);
    var n := Normalize(s);
    assert Trim(n) == n && Squeeze(n) == n && ToLower(n) == n;
  }

  lemma NormalizeNoSpace(s: string)
    ensures ' ' !in Normalize(s)
  {
    var u := Squeeze(Trim(s));
    assert forall i :: 0 <= i < |u| ==> u[i] in u;
  }

  lemma HyphenKeepsLower(a: string, b: string)
    requires LowerCase(a) && LowerCase(b)
    ensures LowerCase(a + "-" + b)
  {
  }

  lemma HyphenKeepsTrim(a: string, b: string)
    requires Trimmed(a) && Trimmed(b)
    ensures Trimmed(a + "-" + b)
  {
    var s := a + "-" + b;
    assert s[0] == if a == "" then '-' else a[0];
    assert s[|s| - 1] == if b == "" then '-' else b[|b| - 1];
  }

  lemma CodeShape(r: Reference)
    ensures Trimmed(GenerateCode(r)) && LowerCase(GenerateCode(r))
  {
    hide Normalize, LowerCase, Trimmed;
    NormalizeShape(r.service);
    NormalizeShape(r.category);
    NormalizeShape(r.action);
    var first := Normalize(r.service) + "-" + Normalize(r.category);
    HyphenKeepsLower(Normalize(r.service), Normalize(r.category));
    HyphenKeepsTrim(Normalize(r.service), Normalize(r.category));
    HyphenKeepsLower(first, Normalize(r.action));
    HyphenKeepsTrim(first, Normalize(r.action));
  }

  /** References whose codes can be read back: no blank part, and no hyphen before the action. */
  predicate Readable(r: Reference) {
    && Trim(r.service) != "" && Trim(r.category) != "" && Trim(r.action) != ""
    && '-' !in Trim(r.service) && '-' !in Trim(r.category)
  }

  lemma ReadsBack(r: Reference)
    requires Readable(r)
    ensures ParseCode(GenerateCode(r)) == Some(Normalized(r))
  {
    hide Normalize, Trim, Squeeze;
    CodeShape(r);
    NormalizeShape(r.service);
    NormalizeShape(r.category);
    NormalizeShape(r.action);
    var s, c, a := Normalize(r.service), Normalize(r.category), Normalize(r.action);
    assert GenerateCode(r) == s + ['-'] + (c + ['-'] + a);
    SplitOnceAt(s, c + ['-'] + a, '-');
    SplitOnceAt(c, a, '-');
  }

  /** Round trip: parsing a generated code gives back the normalised reference exactly for the readable references. */
  lemma RoundTripIff(r: Reference)
    ensures ParseCode(GenerateCode(r)) == Some(Normalized(r)) <==> Readable(r)
  {
    hide Normalize;
    if Readable(r) {
      ReadsBack(r);
    } else {
      NormalizeShape(r.service);
      NormalizeShape(r.category);
      NormalizeShape(r.action);
      ParsedParts(GenerateCode(r));
    }
  }

  /** Whatever text is parsed, its parts are trimmed and not empty, and only the action can hold a hyphen. */
  lemma ParsedParts(code: string)
    ensures ParseCode(code).Some? ==>
              var r := ParseCode(code).value;
              Readable(r) && Trimmed(r.service) && Trimmed(r.category) && Trimmed(r.action)
  {
  }

  /** Codes tell readable references apart up to normalisation. */
  lemma CodesInjective(r: Reference, q: Reference)
    requires Readable(r) && Readable(q)
    ensures GenerateCode(r) == GenerateCode(q) <==> Normalized(r) == Normalized(q)
  {
    ReadsBack(r);
    ReadsBack(q);
  }

  /** Text that normalising leaves alone. */
  predicate Plain(s: string) {
    s != "" && Trimmed(s) && LowerCase(s) && ' ' !in s
  }

  /** Without the condition two different references can share a code: a-b, c, d and a, b, c-d. */
  lemma HyphensCollide(a: string, b: string, c: string, d: string)
    requires Plain(a) && Plain(b) && Plain(c) && Plain(d)
    ensures var r, q := Reference(a + "-" + b, c, d), Reference(a, b, c + "-" + d);
            GenerateCode(r) == GenerateCode(q) && Normalized(r) != Normalized(q)
  {
    hide Normalize, Plain;
    PlainUnchanged(a);
    PlainUnchanged(b);
    PlainUnchanged(c);
    PlainUnchanged(d);
    PlainHyphen(a, b);
    PlainHyphen(c, d);
    assert (a + "-" + b) + "-" + c + "-" + d == a + "-" + b + "-" + (c + "-" + d);
    assert |a + "-" + b| > |a|;
  }

  lemma PlainUnchanged(s: string)
    requires Plain(s)
    ensures Normalize(s) == s
  {
  }

  lemma PlainHyphen(a: string, b: string)
    requires Plain(a) && Plain(b)
    ensures Normalize(a + "-" + b) == a + "-" + b
  {
    hide Normalize;
    HyphenKeepsLower(a, b);
    PlainUnchanged(a + "-" + b);
  }

  // ---------------------------------------------------------------------------------------------
  // The catalog

  function CodeOf(d: Definition): string {
    GenerateCode(d.reference)
  }

  /** `found` maps each key some definition has to the last definition that has it, and nothing else. */
  ghost predicate LastWins(found: map<string, Definition>, definitions: seq<Definition>, key: Definition -> string) {
    && (forall i :: 0 <= i < |definitions| ==> key(definitions[i]) in found)
    && (forall k :: k in found ==> exists i :: IsLast(definitions, key, k, i) && found[k] == definitions[i])
  }

  ghost predicate IsLast(definitions: seq<Definition>, key: Definition -> string, k: string, i: int) {
    0 <= i < |definitions| && key(definitions[i]) == k && forall j :: i < j < |definitions| ==> key(definitions[j]) != k
  }

  lemma LastWinsStep(found: map<string, Definition>, definitions: seq<Definition>, key: Definition -> string, i: int)
    requires 0 <= i < |definitions| && LastWins(found, definitions[..i], key)
    ensures LastWins(found[key(definitions[i]) := definitions[i]], definitions[..i + 1], key)
  {
    var d := definitions[i];
    var next, more := found[key(d) := d], definitions[..i + 1];
    assert forall j :: 0 <= j < i ==> more[j] == definitions[..i][j];
    forall k | k in next
      ensures exists j :: IsLast(more, key, k, j) && next[k] == more[j]
    {
      if k == key(d) {
        assert IsLast(more, key, k, i);
      } else {
        var j :| IsLast(definitions[..i], key, k, j) && found[k] == definitions[..i][j];
        assert IsLast(more, key, k, j);
      }
    }
  }

  class Catalog {
    const definitions: seq<Definition>
    var byName: map<string, Definition>
    var byCode: map<string, Definition>

    ghost predicate Valid()
      reads this
    {
      LastWins(byName, definitions, (d: Definition) => d.name) && LastWins(byCode, definitions, CodeOf)
    }

    constructor (definitions: seq<Definition>)
      ensures this.definitions == definitions && Valid()
    {
      var names: map<string, Definition>, codes: map<string, Definition> := map[], map[];
      ghost var nameOf := (d: Definition) => d.name;
      for i := 0 to |definitions|
        invariant LastWins(names, definitions[..i], nameOf)
        invariant LastWins(codes, definitions[..i], CodeOf)
      {
        LastWinsStep(names, definitions, nameOf, i);
        LastWinsStep(codes, definitions, CodeOf, i);
        names := names[definitions[i].name := definitions[i]];
        codes := codes[GenerateCode(definitions[i].reference) := definitions[i]];
      }
      assert definitions[..|definitions|] == definitions;
      this.definitions := definitions;
      byName, byCode := names, codes;
    }

    /** The last definition with the code, if any has it. */
    method ByCode(code: string) returns (found: Option<Definition>)
      requires Valid()
      ensures found.None? <==> forall i :: 0 <= i < |definitions| ==> CodeOf(definitions[i]) != code
      ensures found.Some? ==> exists i :: IsLast(definitions, CodeOf, code, i) && found.value == definitions[i]
    {
      found := if code in byCode then Some(byCode[code]) else None;
    }
  }

  /** In a catalog of readable references, looking up a readable reference by its code finds a definition exactly when
      one has the same normalised reference, and then finds one that has. */
  lemma LookupByReference(found: map<string, Definition>, definitions: seq<Definition>, r: Reference)
    requires LastWins(found, definitions, CodeOf)
    requires Readable(r) && forall i :: 0 <= i < |definitions| ==> Readable(definitions[i].reference)
    ensures GenerateCode(r) in found <==>
              exists i :: 0 <= i < |definitions| && Normalized(definitions[i].reference) == Normalized(r)
    ensures GenerateCode(r) in found ==> Normalized(found[GenerateCode(r)].reference) == Normalized(r)
  {
    hide GenerateCode, Readable, Normalized;
    forall i | 0 <= i < |definitions|
      ensures GenerateCode(definitions[i].reference) == GenerateCode(r) <==>
                Normalized(definitions[i].reference) == Normalized(r)
    {
      CodesInjective(definitions[i].reference, r);
    }
    forall i | 0 <= i < |definitions|
      ensures CodeOf(definitions[i]) in found
    {
    }
    if GenerateCode(r) in found {
      var i :| IsLast(definitions, CodeOf, GenerateCode(r), i) && found[GenerateCode(r)] == definitions[i];
      assert CodeOf(definitions[i]) == GenerateCode(r);
    }
  }
}
